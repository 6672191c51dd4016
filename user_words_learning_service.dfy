/** services/user_words_learning.py: the word-learning engine — picking a due word with three
    distractors, recording a review, enrolling words and the per-subsection statistics. */
module WordsLearningService {
  import opened Wrappers
  import opened Tables
  import opened Db
  import opened WordsLearningRepo
  import Text
  import Scheduler

  /** At most this many successes: the word is still being actively learned. */
  const ActiveLearningRate: int := 3
  /** At least this many successes: the word counts as learned. */
  const LearnedRate: int := 5

  /** The question shown for a due word. */
  datatype WordExercise = WordExercise(
    russian: string,
    english: string,
    section: string,
    subsection: string,
    exerciseId: int,
    options: seq<string>)

  /** What get_random_word_exercise produces: nothing due (None), an exercise, or one of the two
      ways it raises — a record without its catalogue word (reading `new_word` of None), or a
      distractor pool smaller than three (`random.sample` raises ValueError). */
  datatype PickOutcome = NothingDue | Picked(exercise: WordExercise) | MissingWord | TooFewOptions

  /** The capitalised russian of every word whose raw russian differs from the chosen one. */
  function Candidates(words: seq<NewWord>, russian: string): (r: seq<string>)
    ensures forall o :: o in r ==> exists w :: w in words && w.russian != russian && o == Text.Capitalize(w.russian)
    ensures forall w :: w in words && w.russian != russian ==> Text.Capitalize(w.russian) in r
    ensures |r| == Count(words, (w: NewWord) => w.russian != russian)
  {
    var others := Filter(words, (w: NewWord) => w.russian != russian);
    var r := Project(others, (w: NewWord) => Text.Capitalize(w.russian));
    assert forall w :: w in words && w.russian != russian ==> Text.Capitalize(w.russian) in r by {
      forall w | w in words && w.russian != russian ensures Text.Capitalize(w.russian) in r {
        var i :| 0 <= i < |others| && others[i] == w;
        assert r[i] == Text.Capitalize(w.russian);
      }
    }
    assert forall o :: o in r ==> exists w :: w in words && w.russian != russian && o == Text.Capitalize(w.russian) by {
      forall o | o in r ensures exists w :: w in words && w.russian != russian && o == Text.Capitalize(w.russian) {
        var i :| 0 <= i < |r| && r[i] == o;
        assert others[i] in others;
      }
    }
    r
  }

  /** The options pool for the chosen word: same-subsection candidates, or all of the user's
      words when that gives fewer than three; None when a record's word is missing. */
  function DistractorPool(catalogue: seq<NewWord>, learning: seq<LearningRow>, userId: int, chosen: NewWord)
    : (pool: Option<seq<string>>)
  {
    match JoinWords(catalogue, AllWordsBySectionSubsection(learning, userId, chosen.section, chosen.subsection))
    case None => None
    case Some(same) =>
      var near := Candidates(same, chosen.russian);
      if |near| >= 3 then Some(near)
      else
        match JoinWords(catalogue, AllWordsByUser(learning, userId))
        case None => None
        case Some(all) => Some(Candidates(all, chosen.russian))
  }

  /** Every distractor is the capitalised russian of a catalogue word the user is learning that
      differs from the chosen word; same-subsection words are preferred, and the whole of the
      user's words is used only when the subsection gives fewer than three. */
  lemma DistractorPoolSource(catalogue: seq<NewWord>, learning: seq<LearningRow>, userId: int, chosen: NewWord)
    requires DistractorPool(catalogue, learning, userId, chosen).Some?
    ensures var pool := DistractorPool(catalogue, learning, userId, chosen).value;
      forall o :: o in pool ==> (exists r, w :: r in learning && r.userId == userId && WordOf(catalogue, r) == Some(w)
                                                && w.russian != chosen.russian && o == Text.Capitalize(w.russian))
    ensures var same := JoinWords(catalogue, AllWordsBySectionSubsection(learning, userId, chosen.section, chosen.subsection));
      (same.Some? && |Candidates(same.value, chosen.russian)| >= 3)
      ==> DistractorPool(catalogue, learning, userId, chosen).value == Candidates(same.value, chosen.russian)
    ensures var same := JoinWords(catalogue, AllWordsBySectionSubsection(learning, userId, chosen.section, chosen.subsection));
      var all := JoinWords(catalogue, AllWordsByUser(learning, userId));
      (same.Some? && |Candidates(same.value, chosen.russian)| < 3)
      ==> all.Some? && DistractorPool(catalogue, learning, userId, chosen).value == Candidates(all.value, chosen.russian)
  {
    var pool := DistractorPool(catalogue, learning, userId, chosen).value;
    var same := JoinWords(catalogue, AllWordsBySectionSubsection(learning, userId, chosen.section, chosen.subsection)).value;
    var rows := if |Candidates(same, chosen.russian)| >= 3 then AllWordsBySectionSubsection(learning, userId, chosen.section, chosen.subsection)
                else AllWordsByUser(learning, userId);
    var words := JoinWords(catalogue, rows).value;
    assert pool == Candidates(words, chosen.russian);
    forall o | o in pool
      ensures exists r, w :: r in learning && r.userId == userId && WordOf(catalogue, r) == Some(w)
                             && w.russian != chosen.russian && o == Text.Capitalize(w.russian)
    {
      var w :| w in words && w.russian != chosen.russian && o == Text.Capitalize(w.russian);
      var i :| 0 <= i < |words| && words[i] == w;
      assert rows[i] in rows;
    }
  }

  /** Three different positions of a sequence of length `n`. */
  predicate DistinctPositions(n: int, a: int, b: int, c: int)
  {
    0 <= a < n && 0 <= b < n && 0 <= c < n && a != b && a != c && b != c
  }

  /** Three options drawn from three different positions of the pool (`random.sample(pool, 3)`). */
  ghost predicate SampledFrom(options: seq<string>, pool: seq<string>)
  {
    exists a, b, c :: DistinctPositions(|pool|, a, b, c) && options == [pool[a], pool[b], pool[c]]
  }

  /** random.sample(pool, k=3): three entries from three different positions, in draw order;
      which three is left open. */
  method SampleThree(pool: seq<string>) returns (sample: seq<string>)
    requires |pool| >= 3
    ensures |sample| == 3
    ensures SampledFrom(sample, pool)
  {
    assert DistinctPositions(|pool|, 0, 1, 2);
    var a, b, c :| DistinctPositions(|pool|, a, b, c);
    assert DistinctPositions(|pool|, a, b, c);
    sample := [pool[a], pool[b], pool[c]];
  }

  /** `e` is the exercise get_random_word_exercise builds from the due record `r`. */
  ghost predicate Presents(e: WordExercise, r: LearningRow, catalogue: seq<NewWord>, learning: seq<LearningRow>, userId: int)
  {
    exists w :: WordOf(catalogue, r) == Some(w)
      && e.russian == Text.Capitalize(w.russian) && e.english == Text.Capitalize(w.english)
      && e.section == w.section && e.subsection == w.subsection && e.exerciseId == r.exerciseId
      && DistractorPool(catalogue, learning, userId, w).Some?
      && SampledFrom(e.options, DistractorPool(catalogue, learning, userId, w).value)
  }

  /** The numbers shown for one subsection. */
  datatype SubsectionStats = SubsectionStats(
    learned: nat,
    forTodayLearning: nat,
    activeLearning: nat,
    totalWordsInSubsection: nat,
    successRate: real)

  /** The statistics of one subsection, as get_user_stats computes them. */
  function StatsOf(learning: seq<LearningRow>, userId: int, subsection: string, today: int): SubsectionStats
  {
    var totalSuccess := SumSuccessInSubsection(learning, userId, subsection);
    var totalAttempts := SumAttemptsInSubsection(learning, userId, subsection);
    SubsectionStats(
      CountLearnedInSubsection(learning, userId, subsection, LearnedRate),
      CountTodayInSubsection(learning, userId, subsection, today),
      CountActiveInSubsection(learning, userId, subsection, ActiveLearningRate),
      CountTotalInSubsection(learning, userId, subsection),
      if totalAttempts != 0 then (totalSuccess as real / totalAttempts as real) * 100.0 else 0.0)
  }

  /** A word is never both active and learned, so the two counts add up to at most the
      subsection's size; the words due today are among them too. */
  lemma StatsCountsWithinTotal(learning: seq<LearningRow>, userId: int, subsection: string, today: int)
    ensures var st := StatsOf(learning, userId, subsection, today);
      st.learned + st.activeLearning <= st.totalWordsInSubsection
      && st.forTodayLearning <= st.totalWordsInSubsection
  {
    var rows := InSubsection(learning, userId, subsection);
    CountDisjoint(rows, (x: LearningRow) => x.success >= LearnedRate, (x: LearningRow) => x.success <= ActiveLearningRate,
                  (x: LearningRow) => true);
    CountImplies(rows, (x: LearningRow) => true, (x: LearningRow) => true);
    FilterAll(rows, (x: LearningRow) => true);
  }

  /** The success rate is 0 without attempts and otherwise a percentage: between 0 and 100 when
      no record has more successes than attempts. */
  lemma StatsRateIsPercentage(learning: seq<LearningRow>, userId: int, subsection: string, today: int)
    requires Consistent(learning)
    ensures var st := StatsOf(learning, userId, subsection, today);
      0.0 <= st.successRate <= 100.0
      && (SumAttemptsInSubsection(learning, userId, subsection) == 0 ==> st.successRate == 0.0)
  {
    var rows := InSubsection(learning, userId, subsection);
    forall i | 0 <= i < |rows| ensures rows[i].success <= rows[i].attempts {
      assert rows[i] in rows;
      var j :| 0 <= j < |learning| && learning[j] == rows[i];
    }
    SumMonotone(rows, (x: LearningRow) => x.success, (x: LearningRow) => x.attempts);
    var s := SumSuccessInSubsection(learning, userId, subsection);
    var a := SumAttemptsInSubsection(learning, userId, subsection);
    if a != 0 {
      assert 0 <= s <= a;
      assert Scheduler.SuccessRate(s, a) == s as real / a as real;
    }
  }

  /** The success count a review leaves: one more on a correct answer. */
  function ReviewedSuccess(info: LearningRow, correct: bool): nat
  {
    if correct then info.success + 1 else info.success
  }

  /** The review date a review sets: the scheduler's date from the counts after the answer on
      a correct answer, tomorrow on a wrong one. */
  function ReviewedDate(info: LearningRow, correct: bool, today: int): int
  {
    if correct then Scheduler.NextReviewDate(info.success + 1, info.attempts + 1, today) else today + 1
  }

  /** What a review does to the record: a correct answer adds a success and an attempt and
      schedules the word strictly after today; a wrong answer adds only an attempt and brings
      the word back tomorrow, whatever its history. Either way a consistent record stays so. */
  lemma ReviewEffect(info: LearningRow, correct: bool, today: int)
    ensures var r := Reviewed(info, ReviewedSuccess(info, correct), ReviewedDate(info, correct, today));
      r.attempts == info.attempts + 1
      && r.success == (if correct then info.success + 1 else info.success)
      && r.nextReviewDate > today
      && (!correct ==> r.nextReviewDate == today + 1)
      && (correct ==> r.nextReviewDate == Scheduler.NextReviewDate(info.success + 1, info.attempts + 1, today))
      && (info.success <= info.attempts ==> r.success <= r.attempts)
      && r.userId == info.userId && r.section == info.section && r.subsection == info.subsection
      && r.exerciseId == info.exerciseId
  {
  }

  /** After a recorded review, learning_info reads the reviewed record back. */
  lemma ReviewReadsBack(learning: seq<LearningRow>, userId: int, section: string, subsection: string,
                        exerciseId: int, correct: bool, today: int)
    requires LearningInfo(learning, userId, section, subsection, exerciseId).Some?
    ensures var info := LearningInfo(learning, userId, section, subsection, exerciseId).value;
      var after := ProgressUpdatedForUser(learning, userId, section, subsection, exerciseId,
                                          ReviewedSuccess(info, correct), ReviewedDate(info, correct, today));
      LearningInfo(after, userId, section, subsection, exerciseId)
        == Some(Reviewed(info, ReviewedSuccess(info, correct), ReviewedDate(info, correct, today)))
  {
    var info := LearningInfo(learning, userId, section, subsection, exerciseId).value;
    LearningInfoAfterUpdate(learning, userId, section, subsection, exerciseId,
                            ReviewedSuccess(info, correct), ReviewedDate(info, correct, today));
  }

  /** The records add_words_to_learning creates: one per catalogue word, keyed by its id,
      with no successes, no attempts, and due on the enrolment day. */
  function Enrolment(words: seq<NewWord>, userId: int, section: string, subsection: string, today: int)
    : (entries: seq<LearningRow>)
    ensures |entries| == |words|
    ensures forall i :: 0 <= i < |words| ==>
      entries[i] == LearningRow(userId, section, subsection, words[i].id, 0, 0, today)
  {
    Project(words, (w: NewWord) => LearningRow(userId, section, subsection, w.id, 0, 0, today))
  }

  /** Every enrolled record is due on the enrolment day. */
  lemma EnrolledAreDue(learning: seq<LearningRow>, words: seq<NewWord>, userId: int, section: string,
                       subsection: string, today: int)
    ensures var entries := Enrolment(words, userId, section, subsection, today);
      WordsToLearnToday(learning + entries, userId, today)
        == WordsToLearnToday(learning, userId, today) + entries
  {
    var entries := Enrolment(words, userId, section, subsection, today);
    FilterAppend(learning, entries, (x: LearningRow) => IsDue(x, userId, today));
    FilterAll(entries, (x: LearningRow) => IsDue(x, userId, today));
  }

  class UserWordsLearningService {
    const repo: UserWordsLearningRepository

    constructor (repo: UserWordsLearningRepository)
      ensures this.repo == repo
    {
      this.repo := repo;
    }

    /** get_random_word_exercise: None when nothing is due; otherwise some due record, drawn at
        random, with three options sampled from its distractor pool. */
    method GetRandomWordExercise(userId: int, today: int) returns (outcome: PickOutcome)
      ensures outcome.NothingDue? <==> WordsToLearnToday(repo.db.learning, userId, today) == []
      ensures outcome.Picked? ==> |outcome.exercise.options| == 3
      ensures outcome.Picked? ==>
        (exists r :: r in WordsToLearnToday(repo.db.learning, userId, today)
                  && Presents(outcome.exercise, r, repo.db.newWords, repo.db.learning, userId))
      ensures outcome.TooFewOptions? ==>
        (exists r, w :: r in WordsToLearnToday(repo.db.learning, userId, today)
                     && WordOf(repo.db.newWords, r) == Some(w)
                     && DistractorPool(repo.db.newWords, repo.db.learning, userId, w).Some?
                     && |DistractorPool(repo.db.newWords, repo.db.learning, userId, w).value| < 3)
      ensures outcome.MissingWord? ==>
        (exists r :: r in WordsToLearnToday(repo.db.learning, userId, today)
                  && (WordOf(repo.db.newWords, r).None?
                      || DistractorPool(repo.db.newWords, repo.db.learning, userId, WordOf(repo.db.newWords, r).value).None?))
    {
      var catalogue, learning := repo.db.newWords, repo.db.learning;
      var due := WordsToLearnToday(learning, userId, today);
      if due == [] {
        return NothingDue;
      }
      var i :| 0 <= i < |due|;
      var chosen := due[i];
      var word := WordOf(catalogue, chosen);
      assert chosen in due;
      if word.None? {
        return MissingWord;
      }
      var w := word.value;
      var pool := DistractorPool(catalogue, learning, userId, w);
      if pool.None? {
        return MissingWord;
      }
      var options := pool.value;
      if |options| < 3 {
        return TooFewOptions;
      }
      var sample := SampleThree(options);
      var e := WordExercise(Text.Capitalize(w.russian), Text.Capitalize(w.english), w.section, w.subsection,
                            chosen.exerciseId, sample);
      assert chosen in due;
      assert Presents(e, chosen, catalogue, learning, userId);
      outcome := Picked(e);
    }

    /** get_count_active_learning_exercises. */
    function CountActiveLearningExercises(userId: int): (n: nat)
      reads repo.db
      ensures n <= CountAllByUser(repo.db.learning, userId) - CountLearnedExercises(userId)
    {
      ActiveAndLearnedWithinTotal(repo.db.learning, userId, ActiveLearningRate, LearnedRate);
      CountActiveLearning(repo.db.learning, userId, ActiveLearningRate)
    }

    /** get_count_learned_exercises. */
    function CountLearnedExercises(userId: int): (n: nat)
      reads repo.db
      ensures n <= CountAllByUser(repo.db.learning, userId)
    {
      ActiveAndLearnedWithinTotal(repo.db.learning, userId, ActiveLearningRate, LearnedRate);
      CountLearned(repo.db.learning, userId, LearnedRate)
    }

    /** get_user_stats: one entry per subsection the user has records in (the subsections
        DistinctSubsections lists), holding that subsection's statistics. */
    method GetUserStats(userId: int, today: int) returns (stats: map<string, SubsectionStats>)
      ensures forall k :: k in stats <==> k in DistinctSubsections(repo.db.learning, userId)
      ensures forall k :: k in stats ==> stats[k] == StatsOf(repo.db.learning, userId, k, today)
    {
      var learning := repo.db.learning;
      var subsections := DistinctSubsections(learning, userId);
      stats := map[];
      var i := 0;
      while i < |subsections|
        invariant 0 <= i <= |subsections|
        invariant forall k :: k in stats <==> k in subsections[..i]
        invariant forall k :: k in stats ==> stats[k] == StatsOf(learning, userId, k, today)
      {
        var subsection := subsections[i];
        assert subsections[..i + 1] == subsections[..i] + [subsection];
        stats := stats[subsection := StatsOf(learning, userId, subsection, today)];
        i := i + 1;
      }
      assert subsections[..i] == subsections;
    }

    /** set_progress, corrected: the review of the user's record is computed with the scheduler
        called synchronously, and only that user's record of the word is updated. */
    method SetProgress(userId: int, section: string, subsection: string, exerciseId: int, correct: bool, today: int)
      modifies repo.db`users, repo.db`learning
      ensures var info := LearningInfo(old(repo.db.learning), userId, section, subsection, exerciseId);
        info.None? ==> repo.db.users == old(repo.db.users) && repo.db.learning == old(repo.db.learning)
      ensures var info := LearningInfo(old(repo.db.learning), userId, section, subsection, exerciseId);
        info.Some? ==>
          repo.db.users == AddPoints(old(repo.db.users), userId, if correct then 1 else -1)
          && repo.db.learning == ProgressUpdatedForUser(old(repo.db.learning), userId, section, subsection, exerciseId,
                                   ReviewedSuccess(info.value, correct), ReviewedDate(info.value, correct, today))
    {
      var info := LearningInfo(repo.db.learning, userId, section, subsection, exerciseId);
      if info.None? {
        return;
      }
      if correct {
        repo.UpdateUserPoints(userId, 1);
      } else {
        repo.UpdateUserPoints(userId, -1);
      }
      var successValue := ReviewedSuccess(info.value, correct);
      var nextReviewDate := ReviewedDate(info.value, correct, today);
      repo.UpdateLearningProgressForUser(userId, section, subsection, exerciseId, successValue, nextReviewDate);
    }

    /** set_progress as written: `await` on the plain function calculate_next_review_date raises
        TypeError on a correct answer after the point was added, so the record keeps its old
        state; a wrong answer reaches the update, which has no user filter. */
    method SetProgressAsWritten(userId: int, section: string, subsection: string, exerciseId: int, correct: bool,
                                today: int) returns (raisedTypeError: bool)
      modifies repo.db`users, repo.db`learning
      ensures var info := LearningInfo(old(repo.db.learning), userId, section, subsection, exerciseId);
        info.None? ==> !raisedTypeError && repo.db.users == old(repo.db.users) && repo.db.learning == old(repo.db.learning)
      ensures var info := LearningInfo(old(repo.db.learning), userId, section, subsection, exerciseId);
        info.Some? && correct ==>
          raisedTypeError && repo.db.users == AddPoints(old(repo.db.users), userId, 1)
          && repo.db.learning == old(repo.db.learning)
      ensures var info := LearningInfo(old(repo.db.learning), userId, section, subsection, exerciseId);
        info.Some? && !correct ==>
          !raisedTypeError && repo.db.users == AddPoints(old(repo.db.users), userId, -1)
          && repo.db.learning == ProgressUpdated(old(repo.db.learning), section, subsection, exerciseId,
                                                 info.value.success, today + 1)
    {
      raisedTypeError := false;
      var info := LearningInfo(repo.db.learning, userId, section, subsection, exerciseId);
      if info.None? {
        return;
      }
      if correct {
        repo.UpdateUserPoints(userId, 1);
        raisedTypeError := true;
        return;
      }
      repo.UpdateUserPoints(userId, -1);
      repo.UpdateLearningProgress(section, subsection, exerciseId, info.value.success, today + 1);
    }

    /** add_words_to_learning: one fresh record per catalogue word of the subsection, in id
        order; nothing is written for an empty subsection, and nothing checks for records the
        user already has. */
    method AddWordsToLearning(section: string, subsection: string, userId: int, today: int)
      modifies repo.db`learning
      ensures repo.db.learning == old(repo.db.learning)
                + Enrolment(ListNewWords(repo.db.newWords, section, subsection), userId, section, subsection, today)
    {
      var newWords := ListNewWords(repo.db.newWords, section, subsection);
      var entries := Enrolment(newWords, userId, section, subsection, today);
      if entries != [] {
        repo.AddUserWordsLearningEntries(entries);
      }
    }

    /** admin_add_words_to_learning: a personal word under section = subsection = str(user_id)
        with the next free personal id, and its record, due today. */
    method AdminAddWordsToLearning(russian: string, english: string, userId: int, today: int)
      modifies repo.db`newWords, repo.db`learning
      ensures var key := Text.IntToString(userId);
        var nextId := MaxCustomWordId(old(repo.db.newWords), userId) + 1;
        repo.db.newWords == old(repo.db.newWords) + [NewWord(key, key, nextId, russian, english)]
        && repo.db.learning == old(repo.db.learning) + [LearningRow(userId, key, key, nextId, 0, 0, today)]
        && (forall w :: w in old(repo.db.newWords) && IsPersonalWord(w, userId) ==> w.id < nextId)
        && LearningRow(userId, key, key, nextId, 0, 0, today) in WordsToLearnToday(repo.db.learning, userId, today)
    {
      var section := Text.IntToString(userId);
      var nextId := MaxCustomWordId(repo.db.newWords, userId) + 1;
      var word := NewWord(section, section, nextId, russian, english);
      repo.AddNewWord(word);
      var entry := LearningRow(userId, section, section, nextId, 0, 0, today);
      repo.AddUserWordsLearningEntry(entry);
    }
  }
}
